/** Finding the built assembly of a project: derive the file name from the
    output type and assembly name, collect the existing candidate files
    (from the operator's output directories, or from the declared output
    paths whose build condition is accepted), and pick the most recently
    modified one. */
module VisualStudioAssemblyLocator {
  import opened Text
  import opened VisualStudioProject

  /** The host's settings: key to string value. */
  type Settings = map<string, string>

  /** The regular files, each with its last-modified time. A path that is
      not a key is not a file. */
  type FileSystem = map<string, int>

  const OutputPathKey := "sonar.visualstudio.outputPath"
  const BuildConfigurationKey := "sonar.dotnet.buildConfiguration"
  const BuildPlatformKey := "sonar.dotnet.buildPlatform"

  /** Settings.getString: the value, or None when unset. */
  function GetString(settings: Settings, key: string): Option<string> {
    if key in settings then Some(settings[key]) else None
  }

  /** File.getParent: everything before the last `/`, None without one. */
  function ParentDir(path: string): (r: Option<string>)
    ensures r.Some? ==> |r.value| < |path| && path[..|r.value|] == r.value && path[|r.value|] == '/'
    ensures r.None? <==> '/' !in path
  {
    if '/' in path then Some(path[..LastIndexOf(path, '/')]) else None
  }

  /** new File(parent, child): the child alone when there is no parent. */
  function ChildPath(parent: Option<string>, child: string): (r: string)
    ensures parent.Some? ==> r == parent.value + "/" + child && r[|parent.value|] == '/' && '/' in r
    ensures parent.None? ==> r == child
  {
    if parent.Some? then parent.value + "/" + child else child
  }

  /** The file extension of an output type, ignoring case: `library` gives
      `dll`, `exe` and `winexe` give `exe`, anything else is unsupported. */
  function Extension(outputType: string): (r: Option<string>)
    ensures r == Some("dll") <==> Lower(outputType) == "library"
    ensures r == Some("exe") <==> Lower(outputType) == "exe" || Lower(outputType) == "winexe"
    ensures r.None? <==> Lower(outputType) !in {"library", "exe", "winexe"}
  {
    var t := Lower(outputType);
    if t == "library" then Some("dll")
    else if t == "exe" then Some("exe")
    else if t == "winexe" then Some("exe")
    else None
  }

  /** The output type is looked at without regard to case. */
  lemma ExtensionIgnoresCase(outputType: string)
    ensures Extension(Lower(outputType)) == Extension(outputType)
    ensures Extension("Library") == Some("dll") && Extension("WinExe") == Some("exe")
    ensures Extension("EXE") == Some("exe") && Extension("Module") == None
  {
    LowerIdempotent(outputType);
    assert Lower("Library") == "library";
    assert Lower("WinExe") == "winexe";
    assert Lower("EXE") == "exe";
    assert Lower("Module") == "module";
  }

  /** The deprecated build configuration/platform filter: every condition
      passes unless both settings are given, and then a condition passes
      when it contains both as substrings. */
  function MatchesBuildConfigurationAndPlatform(settings: Settings, condition: string): (r: bool)
    ensures BuildConfigurationKey !in settings || BuildPlatformKey !in settings ==> r
    ensures BuildConfigurationKey in settings && BuildPlatformKey in settings ==>
              (r <==> Contains(condition, settings[BuildConfigurationKey])
                      && Contains(condition, settings[BuildPlatformKey]))
  {
    var buildConfiguration := GetString(settings, BuildConfigurationKey);
    var buildPlatform := GetString(settings, BuildPlatformKey);
    if buildConfiguration.Some? && buildPlatform.Some? then
      Contains(condition, buildConfiguration.value) && Contains(condition, buildPlatform.value)
    else true
  }

  /** The candidate searched in an operator-given output directory. */
  function OverridePath(dir: string, assemblyFileName: string): string {
    ReplaceChar(dir, '\\', '/') + "/" + assemblyFileName
  }

  /** The candidate searched under a declared output path. */
  function DeclaredPath(projectFile: string, outputPath: string, assemblyFileName: string): string {
    ChildPath(ParentDir(projectFile), ReplaceChar(outputPath, '\\', '/') + "/" + assemblyFileName)
  }

  /** Override mode, over the first `n` directories: those holding the file. */
  function OverrideCandidates(fs: FileSystem, dirs: seq<string>, assemblyFileName: string, n: nat): (r: seq<string>)
    requires n <= |dirs|
    ensures forall k :: 0 <= k < |r| ==> r[k] in fs
  {
    if n == 0 then []
    else
      var candidate := OverridePath(dirs[n - 1], assemblyFileName);
      OverrideCandidates(fs, dirs, assemblyFileName, n - 1)
      + if candidate in fs then [candidate] else []
  }

  /** Index `i` of the declared output paths yields a candidate: the file
      exists and its build condition passes the filter. */
  predicate DeclaredContributes(settings: Settings, fs: FileSystem, projectFile: string,
                                assemblyFileName: string, conditions: seq<string>,
                                outputPaths: seq<string>, i: nat)
    requires i < |outputPaths|
  {
    DeclaredPath(projectFile, outputPaths[i], assemblyFileName) in fs
    && i < |conditions| && MatchesBuildConfigurationAndPlatform(settings, conditions[i])
  }

  /** Every declared output path whose file exists has a condition at its
      index. The condition of an index is read only once its file is found,
      so this is what the declared-mode search needs of the two lists; a
      parsed project meets it (the lists are appended in pairs). */
  predicate ConditionsCover(fs: FileSystem, projectFile: string, assemblyFileName: string,
                            conditions: seq<string>, outputPaths: seq<string>)
  {
    forall i :: 0 <= i < |outputPaths| && DeclaredPath(projectFile, outputPaths[i], assemblyFileName) in fs
                ==> i < |conditions|
  }

  /** Declared mode, over the first `n` output paths. */
  function DeclaredCandidates(settings: Settings, fs: FileSystem, projectFile: string,
                              assemblyFileName: string, conditions: seq<string>,
                              outputPaths: seq<string>, n: nat): (r: seq<string>)
    requires n <= |outputPaths|
    ensures forall k :: 0 <= k < |r| ==> r[k] in fs
  {
    if n == 0 then []
    else
      DeclaredCandidates(settings, fs, projectFile, assemblyFileName, conditions, outputPaths, n - 1)
      + if DeclaredContributes(settings, fs, projectFile, assemblyFileName, conditions, outputPaths, n - 1)
        then [DeclaredPath(projectFile, outputPaths[n - 1], assemblyFileName)] else []
  }

  /** All candidates, in search order: override mode when the output-path
      setting is given, declared mode otherwise. */
  function CandidatePaths(settings: Settings, fs: FileSystem, projectFile: string,
                          assemblyFileName: string, conditions: seq<string>,
                          outputPaths: seq<string>): (r: seq<string>)
    ensures forall k :: 0 <= k < |r| ==> r[k] in fs
  {
    match GetString(settings, OutputPathKey)
    case Some(data) =>
      var dirs := JavaSplit(data, ',');
      OverrideCandidates(fs, dirs, assemblyFileName, |dirs|)
    case None =>
      DeclaredCandidates(settings, fs, projectFile, assemblyFileName, conditions, outputPaths, |outputPaths|)
  }

  /** Override mode yields, in directory order, exactly the directories
      holding the file. */
  lemma {:induction false} OverrideCandidatesOrder(fs: FileSystem, dirs: seq<string>, assemblyFileName: string, n: nat)
    returns (idx: seq<nat>)
    requires n <= |dirs|
    ensures |idx| == |OverrideCandidates(fs, dirs, assemblyFileName, n)|
    ensures forall k :: 0 <= k < |idx| ==> idx[k] < n
    ensures forall k1, k2 :: 0 <= k1 < k2 < |idx| ==> idx[k1] < idx[k2]
    ensures forall k :: 0 <= k < |idx| ==>
              OverrideCandidates(fs, dirs, assemblyFileName, n)[k] == OverridePath(dirs[idx[k]], assemblyFileName)
    ensures forall i :: 0 <= i < n && OverridePath(dirs[i], assemblyFileName) in fs ==> i in idx
  {
    if n == 0 {
      idx := [];
    } else {
      idx := OverrideCandidatesOrder(fs, dirs, assemblyFileName, n - 1);
      if OverridePath(dirs[n - 1], assemblyFileName) in fs {
        idx := idx + [n - 1];
      }
    }
  }

  /** Declared mode yields, in index order, exactly the output paths whose
      file exists and whose condition passes the filter. */
  lemma {:induction false} DeclaredCandidatesOrder(settings: Settings, fs: FileSystem, projectFile: string,
                                                   assemblyFileName: string, conditions: seq<string>,
                                                   outputPaths: seq<string>, n: nat)
    returns (idx: seq<nat>)
    requires n <= |outputPaths|
    ensures |idx| == |DeclaredCandidates(settings, fs, projectFile, assemblyFileName, conditions, outputPaths, n)|
    ensures forall k :: 0 <= k < |idx| ==> idx[k] < n
    ensures forall k1, k2 :: 0 <= k1 < k2 < |idx| ==> idx[k1] < idx[k2]
    ensures forall k :: 0 <= k < |idx| ==>
              DeclaredContributes(settings, fs, projectFile, assemblyFileName, conditions, outputPaths, idx[k])
              && DeclaredCandidates(settings, fs, projectFile, assemblyFileName, conditions, outputPaths, n)[k]
                 == DeclaredPath(projectFile, outputPaths[idx[k]], assemblyFileName)
    ensures forall i :: 0 <= i < n
              && DeclaredContributes(settings, fs, projectFile, assemblyFileName, conditions, outputPaths, i)
              ==> i in idx
  {
    if n == 0 {
      idx := [];
    } else {
      var prev := DeclaredCandidates(settings, fs, projectFile, assemblyFileName, conditions, outputPaths, n - 1);
      var all := DeclaredCandidates(settings, fs, projectFile, assemblyFileName, conditions, outputPaths, n);
      idx := DeclaredCandidatesOrder(settings, fs, projectFile, assemblyFileName, conditions, outputPaths, n - 1);
      if DeclaredContributes(settings, fs, projectFile, assemblyFileName, conditions, outputPaths, n - 1) {
        assert all == prev + [DeclaredPath(projectFile, outputPaths[n - 1], assemblyFileName)];
        idx := idx + [n - 1];
      } else {
        assert all == prev;
      }
    }
  }

  /** In override mode the declared output paths and their conditions are
      not looked at. */
  lemma OverrideIgnoresDeclared(settings: Settings, fs: FileSystem, projectFile: string, assemblyFileName: string,
                                conditions: seq<string>, outputPaths: seq<string>,
                                conditions': seq<string>, outputPaths': seq<string>)
    requires OutputPathKey in settings
    ensures CandidatePaths(settings, fs, projectFile, assemblyFileName, conditions, outputPaths)
            == CandidatePaths(settings, fs, projectFile, assemblyFileName, conditions', outputPaths')
  {
  }

  /** FileLastModifiedComparator: newer files first, 0 only for equal times. */
  function CompareLastModified(t1: int, t2: int): (r: int)
    ensures r == 0 <==> t1 == t2
    ensures r < 0 <==> t1 > t2
    ensures -1 <= r <= 1
  {
    if t1 == t2 then 0 else if t1 > t2 then -1 else 1
  }

  /** The comparator obeys the Comparator contract: reversing the arguments
      reverses the sign, and it is transitive. */
  lemma ComparatorContract(t1: int, t2: int, t3: int)
    ensures CompareLastModified(t1, t2) == -CompareLastModified(t2, t1)
    ensures CompareLastModified(t1, t2) <= 0 && CompareLastModified(t2, t3) <= 0
            ==> CompareLastModified(t1, t3) <= 0
  {
  }

  /** The index of the first candidate with the latest last-modified time. */
  function Newest(candidates: seq<string>, fs: FileSystem): (k: nat)
    requires candidates != []
    requires forall j :: 0 <= j < |candidates| ==> candidates[j] in fs
    ensures k < |candidates|
    ensures forall j :: 0 <= j < |candidates| ==> fs[candidates[j]] <= fs[candidates[k]]
    ensures forall j :: 0 <= j < k ==> fs[candidates[j]] < fs[candidates[k]]
  {
    if |candidates| == 1 then 0
    else
      var k := 1 + Newest(candidates[1..], fs);
      if fs[candidates[0]] >= fs[candidates[k]] then 0 else k
  }

  /** `order` lists the candidate indices as Collections.sort with the
      comparator leaves them: a permutation, newest first, and stable (equal
      times keep their search order). */
  predicate StablySortedNewestFirst(candidates: seq<string>, fs: FileSystem, order: seq<nat>)
    requires forall j :: 0 <= j < |candidates| ==> candidates[j] in fs
  {
    && |order| == |candidates|
    && (forall k :: 0 <= k < |order| ==> order[k] < |candidates|)
    && (forall i :: 0 <= i < |candidates| ==> i in order)
    && (forall k1, k2 :: 0 <= k1 < k2 < |order| ==>
          order[k1] < |candidates| && order[k2] < |candidates| &&
          CompareLastModified(fs[candidates[order[k1]]], fs[candidates[order[k2]]]) <= 0)
    && (forall k1, k2 :: 0 <= k1 < k2 < |order| ==>
          order[k1] < |candidates| && order[k2] < |candidates| &&
          (CompareLastModified(fs[candidates[order[k1]]], fs[candidates[order[k2]]]) == 0
           ==> order[k1] < order[k2]))
  }

  /** The head of the stable newest-first sort is the first candidate, in
      search order, with the latest time. */
  lemma StableSortHeadIsNewest(candidates: seq<string>, fs: FileSystem, order: seq<nat>)
    requires candidates != []
    requires forall j :: 0 <= j < |candidates| ==> candidates[j] in fs
    requires StablySortedNewestFirst(candidates, fs, order)
    ensures order[0] == Newest(candidates, fs)
  {
    var n := Newest(candidates, fs);
    assert n in order;
    var k :| 0 <= k < |order| && order[k] == n;
    // order[0] is no older than order[k] == n, so it has the latest time;
    // stability then puts it no later than n, the first with that time.
  }

  /** The assembly of the project: None when the output type or assembly
      name is missing, when the output type is unsupported, or when no
      candidate exists; otherwise the newest candidate. */
  function Locate(settings: Settings, fs: FileSystem, projectFile: string, outputType: Option<string>,
                  assemblyName: Option<string>, conditions: seq<string>, outputPaths: seq<string>): Option<string>
  {
    if outputType.None? || assemblyName.None? then None
    else
      match Extension(outputType.value)
      case None => None
      case Some(ext) =>
        var candidates := CandidatePaths(settings, fs, projectFile, assemblyName.value + "." + ext,
                                         conditions, outputPaths);
        if candidates == [] then None else Some(candidates[Newest(candidates, fs)])
  }

  /** Without an output type or an assembly name the answer is None whatever
      the settings and the files are. */
  lemma LocateNeedsTypeAndName(settings: Settings, fs: FileSystem, settings': Settings, fs': FileSystem,
                               projectFile: string, outputType: Option<string>, assemblyName: Option<string>,
                               conditions: seq<string>, outputPaths: seq<string>)
    requires outputType.None? || assemblyName.None? || Extension(outputType.value).None?
    ensures Locate(settings, fs, projectFile, outputType, assemblyName, conditions, outputPaths) == None
    ensures Locate(settings, fs, projectFile, outputType, assemblyName, conditions, outputPaths)
            == Locate(settings', fs', projectFile, outputType, assemblyName, conditions, outputPaths)
  {
  }

  /** A located assembly is a candidate for `assemblyName + "." + ext`, no
      candidate is newer, and every candidate searched before it is older;
      None means there was no candidate. */
  lemma LocateIsNewestCandidate(settings: Settings, fs: FileSystem, projectFile: string, outputType: string,
                                assemblyName: string, conditions: seq<string>, outputPaths: seq<string>)
    requires Extension(outputType).Some?
    ensures var candidates := CandidatePaths(settings, fs, projectFile,
                                             assemblyName + "." + Extension(outputType).value,
                                             conditions, outputPaths);
            var r := Locate(settings, fs, projectFile, Some(outputType), Some(assemblyName), conditions, outputPaths);
            && (r.None? <==> candidates == [])
            && (r.Some? ==> exists k :: 0 <= k < |candidates| && candidates[k] == r.value
                              && (forall j :: 0 <= j < |candidates| ==> fs[candidates[j]] <= fs[r.value])
                              && (forall j :: 0 <= j < k ==> fs[candidates[j]] < fs[r.value]))
  {
    var candidates := CandidatePaths(settings, fs, projectFile,
                                     assemblyName + "." + Extension(outputType).value,
                                     conditions, outputPaths);
    if candidates != [] {
      var k := Newest(candidates, fs);
      assert candidates[k] == Locate(settings, fs, projectFile, Some(outputType), Some(assemblyName),
                                     conditions, outputPaths).value;
    }
  }

  /** One candidate is returned as it is; of two with different times the
      newer one is returned. */
  lemma NewestOfOneOrTwo(fs: FileSystem, a: string, b: string)
    requires a in fs && b in fs
    ensures [a][Newest([a], fs)] == a
    ensures fs[a] != fs[b] ==>
              [a, b][Newest([a, b], fs)] == (if fs[a] > fs[b] then a else b)
  {
  }

  /** Collects the existing candidates, in search order. */
  method Candidates(settings: Settings, fs: FileSystem, assemblyFileName: string, projectFile: string,
                    project: Project) returns (candidates: seq<string>)
    requires OutputPathKey !in settings ==>
               ConditionsCover(fs, projectFile, assemblyFileName, project.propertyGroupConditions, project.outputPaths)
    ensures candidates == CandidatePaths(settings, fs, projectFile, assemblyFileName,
                                         project.propertyGroupConditions, project.outputPaths)
  {
    candidates := [];
    var data := GetString(settings, OutputPathKey);
    if data.Some? {
      var paths := JavaSplit(data.value, ',');
      for i := 0 to |paths|
        invariant candidates == OverrideCandidates(fs, paths, assemblyFileName, i)
      {
        var candidate := OverridePath(paths[i], assemblyFileName);
        if candidate in fs {
          candidates := candidates + [candidate];
        }
      }
    } else {
      for i := 0 to |project.outputPaths|
        invariant candidates == DeclaredCandidates(settings, fs, projectFile, assemblyFileName,
                                                   project.propertyGroupConditions, project.outputPaths, i)
      {
        var candidate := DeclaredPath(projectFile, project.outputPaths[i], assemblyFileName);
        if candidate !in fs {
        } else if MatchesBuildConfigurationAndPlatform(settings, project.propertyGroupConditions[i]) {
          candidates := candidates + [candidate];
        }
      }
    }
  }

  /** VisualStudioAssemblyLocator.locateAssembly. The newest-first stable
      sort followed by taking the head is computed as Newest (see
      StableSortHeadIsNewest). */
  method LocateAssembly(settings: Settings, fs: FileSystem, projectFile: string, project: Project)
    returns (r: Option<string>)
    requires OutputPathKey !in settings && project.outputType.Some? && project.assemblyName.Some?
             && Extension(project.outputType.value).Some? ==>
               ConditionsCover(fs, projectFile, project.assemblyName.value + "." + Extension(project.outputType.value).value,
                               project.propertyGroupConditions, project.outputPaths)
    ensures r == Locate(settings, fs, projectFile, project.outputType, project.assemblyName,
                        project.propertyGroupConditions, project.outputPaths)
  {
    if project.outputType.None? || project.assemblyName.None? {
      return None;
    }
    var extension := Extension(project.outputType.value);
    if extension.None? {
      return None;
    }
    var assemblyFileName := project.assemblyName.value + "." + extension.value;
    var candidates := Candidates(settings, fs, assemblyFileName, projectFile, project);
    if candidates == [] {
      return None;
    }
    r := Some(candidates[Newest(candidates, fs)]);
  }
}
