# Visual Studio bootstrapper for SonarQube, modelled in Dafny

The SonarQube Visual Studio bootstrapper turns a Visual Studio solution into
the modules of an analysis. When it is enabled, it does the following:

1. It finds the solution file of the analysed directory.
2. It reads every C#, VB.NET or C++ project that the solution lists.
3. It skips the projects that are excluded by name, by pattern, or because
   they are missing or not built.
4. It makes every other project a module of the root project. Each module
   gets its key, directories, source or test files, and the settings that
   the FxCop, ReSharper and StyleCop analysers need.

This project models four pieces of that code and proves what they do.

- **`VisualStudioProject`** (`project.dfy`): the facts read from one project
  file. It also classifies the project as a unit-test project, an
  integration-test project, or both. The classification matches the assembly
  name against `;`-separated wildcard pattern lists (`wildcard.dfy`).
- **`VisualStudioProjectParser`** (`parser.dfy`): the one-pass parser of a
  project file. It runs over the stream of XML events. The meaning of a tag
  depends on the last group (PropertyGroup or ItemGroup) that was entered.
  - The parser is a class with the source's fields and its loop.
  - Each field of the result is tied to a reference definition computed from
    the events alone.
- **`VisualStudioAssemblyLocator`** (`locator.dfy`): finding the built
  assembly of a project.
  - It maps the output type to a file extension.
  - It collects the existing candidate files. They come either from the
    operator's output directories, or from the declared output paths whose
    build condition is accepted.
  - It picks the newest candidate. A stable newest-first sort followed by
    taking the head is proved to give the first candidate in search order
    with the latest time.
- **`VisualStudioProjectBuilder`** (`builder.dfy`): the build itself.
  - The checks applied to each project of the solution, in their order.
  - The solution file choice, the module key and name escaping, the path
    containment test, and the forwarding of module settings.
  - The loop that attaches the modules. It is proved to attach exactly the
    accepted projects, in solution order, each with exactly the contents
    stated by `Expected`.

`text.dfy` holds the string helpers that stand for the Java library calls
the code makes:

- `split`;
- Guava's `Splitter`;
- commons-lang's `StringUtils.split`;
- `toLowerCase`, `replace`, `indexOf`.

The host is passed in as parameters:

- the settings, as a map;
- the files with their modification times, as a map;
- the XML events of each project file;
- the projects listed by each solution file;
- the regular-expression matcher.

The code matches every test pattern against the assembly name without a
null check, so `NameMatchPatterns` and `AssessTestProject` require an
assembly name whenever the pattern list is non-empty.

## Model

| member | source | states |
|---|---|---|
| Wildcard.GlobLiteral | src/main/java/org/sonar/plugins/visualstudio/VisualStudioProject.java:103 | A pattern without `*` or `?` matches exactly itself |
| Wildcard.GlobStarLiteral | src/main/java/org/sonar/plugins/visualstudio/VisualStudioProject.java:103 | `*` followed by a literal matches exactly the names ending in that literal |
| Wildcard.QuestionMatchesOne | src/main/java/org/sonar/plugins/visualstudio/VisualStudioProject.java:103 | `?` consumes exactly one character |
| VisualStudioProject.Patterns | src/main/java/org/sonar/plugins/visualstudio/VisualStudioProject.java:96-99 | An absent or empty list has no patterns; every pattern is non-empty and free of `;` (PatternsOfJoin states which patterns they are) |
| VisualStudioProject.Project.constructor | src/main/java/org/sonar/plugins/visualstudio/VisualStudioProject.java:43-51 | The accessors give back the constructor's arguments; a new project is neither kind of test project, so `IsTest()` is false |
| VisualStudioProject.Project.SetUnitTest | src/main/java/org/sonar/plugins/visualstudio/VisualStudioProject.java:87-89 | Sets the unit-test flag and nothing else |
| VisualStudioProject.Project.SetIntegTest | src/main/java/org/sonar/plugins/visualstudio/VisualStudioProject.java:91-93 | Sets the integration-test flag and nothing else |
| VisualStudioProject.Project.NameMatchPatterns | src/main/java/org/sonar/plugins/visualstudio/VisualStudioProject.java:95-109 | An absent or empty list gives false without looking at the assembly name. Otherwise the result is true exactly when some pattern matches the assembly name (the loop stops at the first match) |
| VisualStudioProject.Project.AssessTestProject | src/main/java/org/sonar/plugins/visualstudio/VisualStudioProject.java:111-117 | Sets each flag from its own list only, whatever the flags were before, so a repeated call gives the same flags. Returns `IsTest()`. No other field changes |
| VisualStudioProject.PatternsOfJoin | src/main/java/org/sonar/plugins/visualstudio/VisualStudioProject.java:96-99 | A list written as non-empty, `;`-free patterns joined by `;` splits back into exactly those patterns, in order |
| VisualStudioProject.SinglePattern | src/main/java/org/sonar/plugins/visualstudio/VisualStudioProject.java:99 | A one-pattern list without `;` splits into that pattern alone |
| VisualStudioProject.MatchesSingle | src/main/java/org/sonar/plugins/visualstudio/VisualStudioProject.java:102-107 | A one-pattern list matches exactly what its pattern matches |
| VisualStudioProject.UnitTestPattern | src/test/java/org/sonar/plugins/visualstudio/VSModelFactoryTest.java:117-126 | `*Test` accepts `MyProjectTest` and refuses `MyProject.IT` and `MyProject` |
| VisualStudioProject.IntegTestPattern | src/test/java/org/sonar/plugins/visualstudio/VSModelFactoryTest.java:118-129 | `*.IT` accepts `MyProject.IT` and refuses `MyProjectTest` and `MyProject` |
| VisualStudioProject.IntegTestPatterns | src/test/java/org/sonar/plugins/visualstudio/VSModelFactoryTest.java:107-130 | With `*Test` and `*.IT`: `MyProjectTest` is a unit-test project only, `MyProject.IT` an integration-test project only, and `MyProject` neither |
| VisualStudioProjectParser.AttributeValue | src/main/java/org/sonar/plugins/visualstudio/VisualStudioProjectParser.java:169-179 | None exactly when no attribute has the name; otherwise the value of the first attribute with that name |
| VisualStudioProjectParser.Step | src/main/java/org/sonar/plugins/visualstudio/VisualStudioProjectParser.java:77-101 | One event keeps conditions and output paths paired, and keeps a condition known inside a property group |
| VisualStudioProjectParser.Run | src/main/java/org/sonar/plugins/visualstudio/VisualStudioProjectParser.java:75-108 | A successful scan ends with conditions and output paths of equal length, and with a condition known inside a property group |
| VisualStudioProjectParser.RunContext | src/main/java/org/sonar/plugins/visualstudio/VisualStudioProjectParser.java:80-84 | The enclosing group is the one most recently entered, so end tags and other elements never change it. The condition in effect is the `Condition` of the last property group entered, or "" when it has none |
| VisualStudioProjectParser.RunFiles | src/main/java/org/sonar/plugins/visualstudio/VisualStudioProjectParser.java:85-90 | The files are the `Include` values of the compile elements inside an item group, in document order. The same elements elsewhere are ignored |
| VisualStudioProjectParser.RunOutputType | src/main/java/org/sonar/plugins/visualstudio/VisualStudioProjectParser.java:91-92 | The output type is the text of the last `OutputType` element, in any context |
| VisualStudioProjectParser.RunAssemblyName | src/main/java/org/sonar/plugins/visualstudio/VisualStudioProjectParser.java:93-96 | The assembly name is the text of the last `AssemblyName`/`ProjectName` element inside a property group |
| VisualStudioProjectParser.StepOutputs | src/main/java/org/sonar/plugins/visualstudio/VisualStudioProjectParser.java:154-158 | One event adds a (condition, path) pair exactly when it is an output-path element inside a property group. The pair is the condition in effect and the element's text |
| VisualStudioProjectParser.RunOutputs | src/main/java/org/sonar/plugins/visualstudio/VisualStudioProjectParser.java:97-100 | Conditions and output paths have equal length. Paired up, they are exactly the output-path elements inside a property group, each with its group's condition, in document order |
| VisualStudioProjectParser.NothingBeforeAGroup | src/main/java/org/sonar/plugins/visualstudio/VisualStudioProjectParser.java:68-100 | Before any group element, no file, assembly name or output path is captured, and the context stays empty |
| VisualStudioProjectParser.RunStopsAtError | src/main/java/org/sonar/plugins/visualstudio/VisualStudioProjectParser.java:75-116 | The first error ends the parse with that error |
| VisualStudioProjectParser.MissingIncludeFails | src/main/java/org/sonar/plugins/visualstudio/VisualStudioProjectParser.java:160-164 | A compile element without `Include` inside an item group fails the parse with an error naming the attribute, the element, the file and the line |
| VisualStudioProjectParser.Parser.constructor | src/main/java/org/sonar/plugins/visualstudio/VisualStudioProjectParser.java:55-61 | A new parser has empty lists, no condition, no output type and no assembly name |
| VisualStudioProjectParser.Parser.Parse | src/main/java/org/sonar/plugins/visualstudio/VisualStudioProjectParser.java:63-119 | On success, returns a fresh project built from the final state of the scan (classified as no kind of test). Otherwise it fails with the scan's first error |
| VisualStudioProjectParser.Parser.HandleStartElement | src/main/java/org/sonar/plugins/visualstudio/VisualStudioProjectParser.java:77-101 | One start element changes the parser's state as `Step` does, or yields `Step`'s error |
| VisualStudioProjectParser.Parser.HandleCompileTag | src/main/java/org/sonar/plugins/visualstudio/VisualStudioProjectParser.java:132-135 | Appends the `Include` value to the files, or fails with the missing-attribute error |
| VisualStudioProjectParser.Parser.HandleOutputTypeTag | src/main/java/org/sonar/plugins/visualstudio/VisualStudioProjectParser.java:137-139 | The element text becomes the output type; an element without text only fails |
| VisualStudioProjectParser.Parser.HandleAssemblyNameTag | src/main/java/org/sonar/plugins/visualstudio/VisualStudioProjectParser.java:141-144 | The element text becomes the assembly name; an element without text only fails |
| VisualStudioProjectParser.Parser.HandlePropertyGroupTag | src/main/java/org/sonar/plugins/visualstudio/VisualStudioProjectParser.java:146-152 | The condition becomes the group's `Condition` attribute, or "" when it has none |
| VisualStudioProjectParser.Parser.HandleOutputPathTag | src/main/java/org/sonar/plugins/visualstudio/VisualStudioProjectParser.java:154-158 | Appends the current condition, then the element text. When the text cannot be read, the condition is already appended and the parse fails |
| VisualStudioProjectParser.Parser.GetRequiredAttribute | src/main/java/org/sonar/plugins/visualstudio/VisualStudioProjectParser.java:160-167 | Succeeds exactly when the attribute is present, with its first value. Otherwise it fails with an error naming the attribute, the element, the file and the line |
| VisualStudioProjectParser.Parser.GetAttribute | src/main/java/org/sonar/plugins/visualstudio/VisualStudioProjectParser.java:169-179 | The search loop finds the first attribute with the name, or nothing |
| VisualStudioProjectParser.AttributeValueFirst | src/main/java/org/sonar/plugins/visualstudio/VisualStudioProjectParser.java:171-175 | The value found is that of the first attribute with the name |
| VisualStudioProjectParser.ParseProject | src/main/java/org/sonar/plugins/visualstudio/VisualStudioProjectParser.java:63-119 | A fresh parser gives the scan's result: a project holding exactly what the scan found, or its first error |
| VisualStudioAssemblyLocator.Extension | src/main/java/org/sonar/plugins/visualstudio/VisualStudioAssemblyLocator.java:79-94 | Ignoring case: `library` gives `dll`, `exe` and `winexe` give `exe`, and nothing else gives an extension (each direction stated) |
| VisualStudioAssemblyLocator.ExtensionIgnoresCase | src/main/java/org/sonar/plugins/visualstudio/VisualStudioAssemblyLocator.java:82-87 | The extension of a lower-cased output type is that of the output type. `Library`, `WinExe`, `EXE` and `Module` give `dll`, `exe`, `exe` and none |
| VisualStudioAssemblyLocator.MatchesBuildConfigurationAndPlatform | src/main/java/org/sonar/plugins/visualstudio/VisualStudioAssemblyLocator.java:133-143 | Every condition passes unless both settings are given. Then a condition passes exactly when it contains both as substrings |
| VisualStudioAssemblyLocator.OverrideCandidatesOrder | src/main/java/org/sonar/plugins/visualstudio/VisualStudioAssemblyLocator.java:99-109 | Override mode yields, in directory order, exactly the directories (backslashes made slashes) that hold the file |
| VisualStudioAssemblyLocator.DeclaredCandidatesOrder | src/main/java/org/sonar/plugins/visualstudio/VisualStudioAssemblyLocator.java:110-124 | Declared mode yields, in index order, exactly the output paths whose file exists and whose condition passes the filter |
| VisualStudioAssemblyLocator.CandidatePaths | src/main/java/org/sonar/plugins/visualstudio/VisualStudioAssemblyLocator.java:96-127 | Every candidate is an existing file. No precondition: in declared mode an output path without a condition at its index contributes nothing |
| VisualStudioAssemblyLocator.OverrideIgnoresDeclared | src/main/java/org/sonar/plugins/visualstudio/VisualStudioAssemblyLocator.java:98-109 | In override mode, the declared output paths and conditions do not change the candidates |
| VisualStudioAssemblyLocator.CompareLastModified | src/main/java/org/sonar/plugins/visualstudio/VisualStudioAssemblyLocator.java:150-156 | 0 exactly on equal times, negative exactly when the first is newer |
| VisualStudioAssemblyLocator.ComparatorContract | src/main/java/org/sonar/plugins/visualstudio/VisualStudioAssemblyLocator.java:150-156 | The comparator is antisymmetric and transitive, as `Comparator` requires |
| VisualStudioAssemblyLocator.Newest | src/main/java/org/sonar/plugins/visualstudio/VisualStudioAssemblyLocator.java:68-74 | The index of a candidate no older than any other, and newer than every candidate before it |
| VisualStudioAssemblyLocator.StableSortHeadIsNewest | src/main/java/org/sonar/plugins/visualstudio/VisualStudioAssemblyLocator.java:68-74 | The head of any stable newest-first ordering of the candidates is `Newest` |
| VisualStudioAssemblyLocator.LocateNeedsTypeAndName | src/main/java/org/sonar/plugins/visualstudio/VisualStudioAssemblyLocator.java:49-58 | Without an output type, an assembly name or a supported extension, the result is none, whatever the settings and files |
| VisualStudioAssemblyLocator.LocateIsNewestCandidate | src/main/java/org/sonar/plugins/visualstudio/VisualStudioAssemblyLocator.java:60-74 | With a supported extension, the result is none exactly when there is no candidate for `assemblyName.ext`. Otherwise it is a candidate no older than any, and newer than every candidate searched before it |
| VisualStudioAssemblyLocator.NewestOfOneOrTwo | src/main/java/org/sonar/plugins/visualstudio/VisualStudioAssemblyLocator.java:68-74 | One candidate is picked as it is; of two with different times, the newer one is picked |
| VisualStudioAssemblyLocator.Candidates | src/main/java/org/sonar/plugins/visualstudio/VisualStudioAssemblyLocator.java:96-127 | The loops collect exactly the candidates of `CandidatePaths`, in search order. In declared mode it requires a condition at the index of every output path whose file exists, since the loop reads that condition |
| VisualStudioAssemblyLocator.LocateAssembly | src/main/java/org/sonar/plugins/visualstudio/VisualStudioAssemblyLocator.java:47-75 | The result is `Locate` of the project's facts. It requires a condition at the index of every existing declared candidate only when declared mode searches at all (no output-path setting, and an output type, assembly name and extension present) |
| VisualStudioProjectBuilder.SupportedProjectTypeIgnoresCase | src/main/java/org/sonar/plugins/visualstudio/VisualStudioProjectBuilder.java:125-130 | The extension test gives the same answer for a path and its lower-cased form |
| VisualStudioProjectBuilder.SupportedProjectTypes | src/main/java/org/sonar/plugins/visualstudio/VisualStudioProjectBuilder.java:125-130 | `App.CSPROJ`, `Lib.VbProj` and `Native.vcxproj` are supported |
| VisualStudioProjectBuilder.WixProjectUnsupported | src/main/java/org/sonar/plugins/visualstudio/VisualStudioProjectBuilder.java:125-130 | `Setup.wixproj` is not supported |
| VisualStudioProjectBuilder.SkippedProjectsByNames | src/main/java/org/sonar/plugins/visualstudio/VisualStudioProjectBuilder.java:289-299 | An absent setting gives no names; every name is non-empty and free of `,` |
| VisualStudioProjectBuilder.SkippedNamesOfJoin | src/main/java/org/sonar/plugins/visualstudio/VisualStudioProjectBuilder.java:298 | A setting written as names joined by commas is read back as exactly those names |
| VisualStudioProjectBuilder.ProjectKey | src/main/java/org/sonar/plugins/visualstudio/VisualStudioProjectBuilder.java:242-260 | Under the `unsafe` strategy, a key holding `:` is cut just before its first `:`. Any other key, and any key under another strategy, is returned unchanged |
| VisualStudioProjectBuilder.ProjectKeyIdempotent | src/main/java/org/sonar/plugins/visualstudio/VisualStudioProjectBuilder.java:242-260 | Shortening a key twice gives the same key as shortening it once |
| VisualStudioProjectBuilder.EscapeProjectName | src/main/java/org/sonar/plugins/visualstudio/VisualStudioProjectBuilder.java:262-269 | The result holds no space, plus sign or combining mark. A name without marks keeps its length, with only spaces and plus signs turned into `_` |
| VisualStudioProjectBuilder.EscapeProjectNameIdempotent | src/main/java/org/sonar/plugins/visualstudio/VisualStudioProjectBuilder.java:262-269 | Escaping an escaped name changes nothing |
| VisualStudioProjectBuilder.EscapeKeepsSafe | src/main/java/org/sonar/plugins/visualstudio/VisualStudioProjectBuilder.java:262-269 | A name without spaces, plus signs or marks is its own escape |
| VisualStudioProjectBuilder.EscapeExample | src/main/java/org/sonar/plugins/visualstudio/VisualStudioProjectBuilder.java:266-267 | `A b+` becomes `A_b_` |
| VisualStudioProjectBuilder.Resolve | src/main/java/org/sonar/plugins/visualstudio/VisualStudioProjectBuilder.java:210 | A canonical path holds no empty, `.` or `..` segment |
| VisualStudioProjectBuilder.ResolveAppend | src/main/java/org/sonar/plugins/visualstudio/VisualStudioProjectBuilder.java:210 | Segments without `..` resolve independently of what precedes them |
| VisualStudioProjectBuilder.InsideWithoutParentSteps | src/main/java/org/sonar/plugins/visualstudio/VisualStudioProjectBuilder.java:208-214 | A relative path that names something and has no `..` segment lies inside the directory it is resolved against |
| VisualStudioProjectBuilder.ParentStepLeaves | src/main/java/org/sonar/plugins/visualstudio/VisualStudioProjectBuilder.java:208-214 | `..\name` resolved against a directory below the top lies outside that directory |
| VisualStudioProjectBuilder.GetSolutionFile | src/main/java/org/sonar/plugins/visualstudio/VisualStudioProjectBuilder.java:216-236 | A non-empty solution setting always wins. Otherwise: no `.sln` file in the base directory gives none, exactly one gives that file, and several give an error naming the directory |
| VisualStudioProjectBuilder.Decide | src/main/java/org/sonar/plugins/visualstudio/VisualStudioProjectBuilder.java:90-111 | An added project keeps its solution name, and its project file exists |
| VisualStudioProjectBuilder.DecisionOrder | src/main/java/org/sonar/plugins/visualstudio/VisualStudioProjectBuilder.java:90-111 | Each skip reason is given exactly when every earlier check passed and its own failed. The order is: type, skip list, skip pattern, file present, parse, then no assembly `Locate`d while skip-if-not-built is set. A parse failure carries the parser's error. A project is added exactly when it passes every check, and its entry holds its name, its project file, the parsed files and the assembly `Locate` found for it |
| VisualStudioProjectBuilder.Decisions | src/main/java/org/sonar/plugins/visualstudio/VisualStudioProjectBuilder.java:90-112 | One decision per project of the solution |
| VisualStudioProjectBuilder.DecisionsAt | src/main/java/org/sonar/plugins/visualstudio/VisualStudioProjectBuilder.java:90-112 | The decision at each position is the one taken for the project at that position |
| VisualStudioProjectBuilder.PlanIsAcceptedProjects | src/main/java/org/sonar/plugins/visualstudio/VisualStudioProjectBuilder.java:90-114 | The planned modules all come from accepted projects. Without a failure, every accepted project is planned and no project failed. A failure is the error of the first project that failed |
| VisualStudioProjectBuilder.PlanInOrder | src/main/java/org/sonar/plugins/visualstudio/VisualStudioProjectBuilder.java:90-114 | The planned modules are exactly the added entries in solution order: all of them when no project failed, and those before the first failure otherwise |
| VisualStudioProjectBuilder.PlanStopsAtFailure | src/main/java/org/sonar/plugins/visualstudio/VisualStudioProjectBuilder.java:102 | Once a project fails, the projects after it change nothing |
| VisualStudioProjectBuilder.ForwardedContents | src/main/java/org/sonar/plugins/visualstudio/VisualStudioProjectBuilder.java:173-179 | A module named `name` has the setting `x` exactly when the setting `name.x` exists, and with its value |
| VisualStudioProjectBuilder.ForwardedOfContents | src/main/java/org/sonar/plugins/visualstudio/VisualStudioProjectBuilder.java:174-177 | The same for any subset of the settings' keys, taken one at a time in any order |
| VisualStudioProjectBuilder.ForwardedUpdate | src/main/java/org/sonar/plugins/visualstudio/VisualStudioProjectBuilder.java:175-176 | One more setting changes a module's forwarded settings only when its key starts with the module name and a dot, and then only at the key's suffix |
| VisualStudioProjectBuilder.ModulePropertiesContents | src/main/java/org/sonar/plugins/visualstudio/VisualStudioProjectBuilder.java:167-206 | The ReSharper keys hold the solution file and the project name, and the StyleCop key holds the project file. Both FxCop keys hold a located assembly. Every other key `x` holds exactly the setting `name.x` |
| VisualStudioProjectBuilder.KeptFiles | src/main/java/org/sonar/plugins/visualstudio/VisualStudioProjectBuilder.java:152-165 | Every kept file exists and lies inside the project directory |
| VisualStudioProjectBuilder.KeptFilesExactly | src/main/java/org/sonar/plugins/visualstudio/VisualStudioProjectBuilder.java:152-165 | A path is kept exactly when it is a declared file, resolved against the project directory, that exists and lies inside it |
| VisualStudioProjectBuilder.Module.constructor | src/main/java/org/sonar/plugins/visualstudio/VisualStudioProjectBuilder.java:135-141 | A new module has its key, name and directories, and no files or settings |
| VisualStudioProjectBuilder.RootProject.ResetSourceDirs | src/main/java/org/sonar/plugins/visualstudio/VisualStudioProjectBuilder.java:83 | The root has no source directories left |
| VisualStudioProjectBuilder.RootProject.AddSubProject | src/main/java/org/sonar/plugins/visualstudio/VisualStudioProjectBuilder.java:138 | The module is appended to the root's modules |
| VisualStudioProjectBuilder.ForwardModuleProperties | src/main/java/org/sonar/plugins/visualstudio/VisualStudioProjectBuilder.java:173-179 | The loop over the settings adds exactly the forwarded settings to the module's settings |
| VisualStudioProjectBuilder.SetFxCopProperties | src/main/java/org/sonar/plugins/visualstudio/VisualStudioProjectBuilder.java:181-192 | With a located assembly, both FxCop keys point at it; without one, nothing changes |
| VisualStudioProjectBuilder.SetReSharperProperties | src/main/java/org/sonar/plugins/visualstudio/VisualStudioProjectBuilder.java:199-202 | Sets the solution file and the project name for ReSharper |
| VisualStudioProjectBuilder.SetStyleCopProperties | src/main/java/org/sonar/plugins/visualstudio/VisualStudioProjectBuilder.java:204-206 | Sets the project file for StyleCop |
| VisualStudioProjectBuilder.ExpectedShape | src/main/java/org/sonar/plugins/visualstudio/VisualStudioProjectBuilder.java:132-171 | A module's key is the root key (per the key strategy), a colon, and a name free of spaces, plus signs and marks. Its work directory lies under the root's. The project directory is its only source directory (test directory for a test project). Its source (or test) files are exactly the declared files that exist inside that directory. Its settings are as `ModulePropertiesContents` says |
| VisualStudioProjectBuilder.AddProjectFiles | src/main/java/org/sonar/plugins/visualstudio/VisualStudioProjectBuilder.java:152-165 | The files loop adds the kept files, as test files of a test project and as source files otherwise |
| VisualStudioProjectBuilder.CreateModule | src/main/java/org/sonar/plugins/visualstudio/VisualStudioProjectBuilder.java:133-150 | A fresh module, appended to the root, with its key, name, base and work directories, and its source or test directory |
| VisualStudioProjectBuilder.SetModuleProperties | src/main/java/org/sonar/plugins/visualstudio/VisualStudioProjectBuilder.java:167-170 | A module without settings ends with exactly the settings `ModulePropertiesContents` describes |
| VisualStudioProjectBuilder.BuildModule | src/main/java/org/sonar/plugins/visualstudio/VisualStudioProjectBuilder.java:132-171 | Appends a fresh module to the root, holding exactly what `Expected` (see `ExpectedShape`) says for the project |
| VisualStudioProjectBuilder.VisitProject | src/main/java/org/sonar/plugins/visualstudio/VisualStudioProjectBuilder.java:91-110 | A skipped project leaves the root as it was. A failing one reports the parser's error. An added one becomes a fresh module appended to the root, holding what `Expected` says |
| VisualStudioProjectBuilder.BuildStep | src/main/java/org/sonar/plugins/visualstudio/VisualStudioProjectBuilder.java:90-112 | One turn of the loop keeps the root's modules equal to the modules planned so far, each holding its `Expected` contents, and stops the build at a failure |
| VisualStudioProjectBuilder.BuildModules | src/main/java/org/sonar/plugins/visualstudio/VisualStudioProjectBuilder.java:85-114 | The modules before the loop are kept. The fresh modules after them are exactly the planned modules, in solution order, each holding its `Expected` contents. The result is the first parse error, or an error when no module was added, or success |
| VisualStudioProjectBuilder.Build | src/main/java/org/sonar/plugins/visualstudio/VisualStudioProjectBuilder.java:63-115 | Disabled, or no solution: the root is unchanged. Several `.sln` files, or hand-set modules: an error, with the root unchanged. Otherwise the root's source directories are cleared and the modules are attached as `BuildModules` says |

## Left out

- Reading XML: the StAX reader, character decoding and stream closing. The
  parser takes the document as a sequence of events. A start element carries
  its attributes, its line, and its text when it holds text only. Malformed
  XML and I/O errors are not modelled.
- Logging throughout, and the wording of error messages. Errors are
  datatypes that carry the values the messages name.
- The file system. Files are a map from path to last-modified time, and a
  path in the map is a file.
  - Paths are composed as strings with `/`.
  - `java.io.File` normalisation (repeated or trailing slashes) and
    resolution against the working directory are not modelled. The common
    case is an output path written `bin\Debug\`. It composes to
    `dir/bin/Debug//Name.dll`, which Java reads as `dir/bin/Debug/Name.dll`,
    so that candidate is looked up under the doubled slash.
  - `getAbsolutePath` is not modelled: settings and files hold the composed
    paths.
  - `File.getParent` is modelled as the part before the last `/`.
- VisualStudioProjectBuilder.IsInSourceDir: canonical paths are modelled as
  the names left after resolving `.`, `..` and empty segments. Symbolic links
  are not followed. For the root folder itself (no segments), every path
  counts as inside, whereas `startsWith("//")` admits none.
- VisualStudioProjectBuilder.EscapeProjectName: NFD decomposition is not
  modelled. Only combining marks U+0300 to U+036F already in the name are
  removed, not every character of the Unicode mark category.
- Text.Lower: lower-casing covers ASCII letters only.
- VisualStudioProjectBuilder.MatchesPropertyRegex: Java regular expressions
  are not modelled. The matcher is a parameter, and only the rule that an
  unset pattern matches nothing is stated. An invalid pattern
  (PatternSyntaxException) is not modelled.
- Wildcard.Glob: Sonar's WildcardPattern is modelled only for names and
  patterns without directory separators, `**`, or its escaping of regex
  characters.
- `isWebApplication` and the FxCop `aspnet` setting are not modelled. They
  read `projectTypeGuids`, which the project record does not have.
- VisualStudioSolutionParser is not part of this model. The projects that a
  solution lists are a parameter.
- VisualStudioPlugin.java is not part of this model. These keys are stand-in
  spellings:
  - the skipped-projects key;
  - the skip-pattern key;
  - the test-pattern key;
  - the skip-if-not-built key;
  - the key-strategy key.
- VisualStudioAssemblyLocator.LocateAssembly: the project name is only
  logged, so it is not a parameter. In declared mode the Java reads the
  condition at index `i` only after the file of output path `i` is found.
  So a hand-built project whose conditions list is shorter than its output
  paths fails with an index error exactly when such a file exists at an
  index without a condition. The method requires that this does not happen
  (`ConditionsCover`), but only when declared mode searches at all. A parsed
  project always meets it, because `RunOutputs` proves the two lists have
  equal length. The index error itself is not modelled.
- VisualStudioAssemblyLocator.Candidates: the same requirement as
  LocateAssembly, in declared mode only.
- The empty `VerifyPresenceOfDll` of the locator is not modelled.
- VisualStudioProject.Project.NameMatchPatterns: requires an assembly name
  when the list is non-empty. The code dereferences it unconditionally, so
  a missing name is a null-pointer failure rather than "no match".
- VisualStudioProject.Project.AssessTestProject: the same requirement as
  NameMatchPatterns, for either list.
- VisualStudioProjectBuilder.BuildModule: requires a project file with a
  directory part. Every project file that Decide accepts has one, because the
  solution file always has one.
- VisualStudioProjectBuilder.AddProjectFiles: requires a module without
  files. It is called only on a module that CreateModule has just made.
- VisualStudioProjectBuilder.SetModuleProperties: requires a module without
  settings, for the same reason.
- VisualStudioProjectBuilder.Module: the key, name and directories are set
  once, when the module is created, and are then read-only. The host's
  setters could change them again, but the code never does.
- VisualStudioProjectBuilder.RootProject.ResetSourceDirs: modelled as
  clearing the root's source directories only.
- VisualStudioProjectBuilder.ForwardModuleProperties: the settings are
  visited in no particular order. This matches a hash map's iteration.
  Distinct keys give distinct module settings, so the order does not change
  the result.
- VisualStudioProjectBuilder.Build: the build's errors are returned as
  values rather than thrown. A failure part-way leaves the modules attached
  before it, as the code does.
