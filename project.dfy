/** The facts extracted from one project file, and the classification of the
    project as a unit-test and/or integration-test project. */
module VisualStudioProject {
  import opened Text
  import opened Wildcard

  /** The patterns of a `;`-separated pattern list: none for an absent or
      empty list, otherwise its non-empty pieces. */
  function Patterns(list: Option<string>): (ps: seq<string>)
    ensures list.None? || list.value == "" ==> ps == []
    ensures forall k :: 0 <= k < |ps| ==> ps[k] != "" && ';' !in ps[k]
  {
    if list.None? || list.value == "" then [] else Tokens(list.value, ';')
  }

  /** Some pattern of the list matches `name`. */
  predicate MatchesSome(patterns: seq<string>, name: string) {
    exists k :: 0 <= k < |patterns| && Glob(patterns[k], name)
  }

  class Project {
    const files: seq<string>
    const outputType: Option<string>
    const assemblyName: Option<string>
    const propertyGroupConditions: seq<string>
    const outputPaths: seq<string>
    var unitTest: bool
    var integTest: bool

    /** A new project is neither a unit-test nor an integration-test project;
        the accessors give back the constructor's arguments. */
    constructor (files: seq<string>, outputType: Option<string>, assemblyName: Option<string>,
                 propertyGroupConditions: seq<string>, outputPaths: seq<string>)
      ensures this.files == files && this.outputType == outputType
      ensures this.assemblyName == assemblyName
      ensures this.propertyGroupConditions == propertyGroupConditions
      ensures this.outputPaths == outputPaths
      ensures !unitTest && !integTest && !IsTest()
    {
      this.files := files;
      this.outputType := outputType;
      this.assemblyName := assemblyName;
      this.propertyGroupConditions := propertyGroupConditions;
      this.outputPaths := outputPaths;
      this.unitTest := false;
      this.integTest := false;
    }

    predicate IsTest()
      reads this
    {
      unitTest || integTest
    }

    method SetUnitTest(test: bool)
      modifies this`unitTest
      ensures unitTest == test
    {
      unitTest := test;
    }

    method SetIntegTest(test: bool)
      modifies this`integTest
      ensures integTest == test
    {
      integTest := test;
    }

    /** Scans the patterns in order and stops at the first one matching the
        assembly name. An absent or empty list matches nothing and never
        looks at the assembly name; any other list needs one. */
    method NameMatchPatterns(testProjectPatterns: Option<string>) returns (testFlag: bool)
      requires Patterns(testProjectPatterns) != [] ==> assemblyName.Some?
      ensures Patterns(testProjectPatterns) == [] ==> !testFlag
      ensures testFlag <==> exists k :: 0 <= k < |Patterns(testProjectPatterns)|
                                        && Glob(Patterns(testProjectPatterns)[k], assemblyName.value)
    {
      if testProjectPatterns.None? || testProjectPatterns.value == "" {
        return false;
      }
      var patterns := Tokens(testProjectPatterns.value, ';');
      testFlag := false;
      var i := 0;
      while i < |patterns|
        invariant 0 <= i <= |patterns|
        invariant !testFlag
        invariant forall k :: 0 <= k < i ==> !Glob(patterns[k], assemblyName.value)
      {
        if Glob(patterns[i], assemblyName.value) {
          testFlag := true;
          break;
        }
        i := i + 1;
      }
    }

    /** Sets both flags from their own pattern list, independently of each
        other and of their previous values (so a second call with the same
        lists leaves the same flags), and returns whether the project is now
        a test project. Nothing else changes. */
    method AssessTestProject(patternUT: Option<string>, patternIT: Option<string>) returns (r: bool)
      requires Patterns(patternUT) != [] || Patterns(patternIT) != [] ==> assemblyName.Some?
      modifies this`unitTest, this`integTest
      ensures unitTest == (Patterns(patternUT) != [] && MatchesSome(Patterns(patternUT), assemblyName.value))
      ensures integTest == (Patterns(patternIT) != [] && MatchesSome(Patterns(patternIT), assemblyName.value))
      ensures r == IsTest()
    {
      var testFlag := NameMatchPatterns(patternUT);
      SetUnitTest(testFlag);
      var integTestFlag := NameMatchPatterns(patternIT);
      SetIntegTest(integTestFlag);
      r := testFlag || integTestFlag;
    }
  }

  /** A list holding one pattern without `;` is that pattern alone. */
  lemma SinglePattern(p: string)
    requires p != "" && ';' !in p
    ensures Patterns(Some(p)) == [p]
  {
    assert Fields(p, ';') == [p];
    assert NonEmpty([p]) == [p] + NonEmpty([]);
  }

  /** A list written as patterns joined by `;` is read back as exactly
      those patterns, in order. */
  lemma PatternsOfJoin(ps: seq<string>)
    requires ps != []
    requires forall k :: 0 <= k < |ps| ==> ps[k] != "" && ';' !in ps[k]
    ensures Patterns(Some(Join(ps, ';'))) == ps
  {
    TokensOfJoin(ps, ';');
    assert Join(ps, ';') != "" by {
      assert Tokens(Join(ps, ';'), ';') != [];
    }
  }

  /** A one-pattern list matches exactly what its pattern matches. */
  lemma MatchesSingle(p: string, name: string)
    ensures MatchesSome([p], name) <==> Glob(p, name)
  {
    if Glob(p, name) {
      assert Glob([p][0], name);
    }
  }

  /** `*Test` recognises the unit-test name of the example and refuses the
      other two. */
  lemma UnitTestPattern()
    ensures Glob("*Test", "MyProjectTest")
    ensures !Glob("*Test", "MyProject.IT") && !Glob("*Test", "MyProject")
  {
    assert ['*'] + "Test" == "*Test";
    GlobStarLiteral("Test", "MyProjectTest");
    GlobStarLiteral("Test", "MyProject.IT");
    GlobStarLiteral("Test", "MyProject");
    assert "MyProjectTest"[9..] == "Test";
    assert "MyProject.IT"[8..] != "Test";
    assert "MyProject"[5..] != "Test";
  }

  /** `*.IT` recognises the integration-test name of the example and
      refuses the other two. */
  lemma IntegTestPattern()
    ensures Glob("*.IT", "MyProject.IT")
    ensures !Glob("*.IT", "MyProjectTest") && !Glob("*.IT", "MyProject")
  {
    assert ['*'] + ".IT" == "*.IT";
    GlobStarLiteral(".IT", "MyProjectTest");
    GlobStarLiteral(".IT", "MyProject.IT");
    GlobStarLiteral(".IT", "MyProject");
    assert "MyProject.IT"[9..] == ".IT";
    assert "MyProjectTest"[10..] != ".IT";
    assert "MyProject"[6..] != ".IT";
  }

  /** With the unit-test list `*Test` and the integration-test list `*.IT`,
      `MyProjectTest` is a unit-test project only, `MyProject.IT` an
      integration-test project only, and `MyProject` neither. */
  lemma IntegTestPatterns()
    ensures MatchesSome(Patterns(Some("*Test")), "MyProjectTest")
    ensures !MatchesSome(Patterns(Some("*.IT")), "MyProjectTest")
    ensures !MatchesSome(Patterns(Some("*Test")), "MyProject.IT")
    ensures MatchesSome(Patterns(Some("*.IT")), "MyProject.IT")
    ensures !MatchesSome(Patterns(Some("*Test")), "MyProject")
    ensures !MatchesSome(Patterns(Some("*.IT")), "MyProject")
  {
    SinglePattern("*Test");
    SinglePattern("*.IT");
    UnitTestPattern();
    IntegTestPattern();
    MatchesSingle("*Test", "MyProjectTest");
    MatchesSingle("*Test", "MyProject.IT");
    MatchesSingle("*Test", "MyProject");
    MatchesSingle("*.IT", "MyProjectTest");
    MatchesSingle("*.IT", "MyProject.IT");
    MatchesSingle("*.IT", "MyProject");
  }
}
