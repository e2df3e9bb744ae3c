/** The one-pass project-file parser. The XML document is given as the
    sequence of events a streaming reader delivers; only element starts do
    anything. The meaning of a tag depends on the group (PropertyGroup or
    ItemGroup) most recently entered, which is how one parser reads both the
    C#/VB project schema and the C++ one. */
module VisualStudioProjectParser {
  import opened Text
  import opened VisualStudioProject

  datatype Attribute = Attribute(localName: string, value: string)

  /** One event of the XML stream. A start element carries its attributes,
      the line it starts on, and its text content when the element holds
      text only (None when it has child elements, where reading its text
      fails). */
  datatype Event =
    | StartElement(localName: string, attributes: seq<Attribute>, text: Option<string>, line: nat)
    | EndElement(localName: string)
    | Characters(content: string)

  /** The enclosing group the parser believes it is in. */
  datatype Group = NoGroup | InPropertyGroup | InItemGroup

  datatype ParseError =
    /** A required attribute is missing: attribute, element, file and line. */
    | MissingAttribute(attribute: string, element: string, file: string, line: nat)
    /** The text of an element with child elements was asked for. */
    | TextExpected(element: string, file: string, line: nat)

  const PropertyGroupTag := "PropertyGroup"
  const ItemGroupTag := "ItemGroup"

  /** Elements naming a compiled or included source file. */
  predicate IsCompileTag(tag: string) {
    tag == "Compile" || tag == "ClCompile" || tag == "ClInclude" || tag == "Page"
  }

  /** Elements naming the assembly (C#/VB) or the project (C++). */
  predicate IsAssemblyNameTag(tag: string) {
    tag == "AssemblyName" || tag == "ProjectName"
  }

  /** Elements naming an output path (C#/VB) or configuration type (C++). */
  predicate IsOutputPathTag(tag: string) {
    tag == "OutputPath" || tag == "ConfigurationType"
  }

  /** The value of the first attribute called `name`, if any. */
  function AttributeValue(attributes: seq<Attribute>, name: string): (r: Option<string>)
    ensures r.None? <==> forall k :: 0 <= k < |attributes| ==> attributes[k].localName != name
    ensures r.Some? ==> exists k :: 0 <= k < |attributes| && attributes[k].localName == name
                                    && attributes[k].value == r.value
                                    && forall j :: 0 <= j < k ==> attributes[j].localName != name
  {
    if attributes == [] then None
    else if attributes[0].localName == name then Some(attributes[0].value)
    else AttributeValue(attributes[1..], name)
  }

  /** The scan state: the enclosing group, the condition of the last
      property group, the last output type and assembly name seen, and the
      three lists built so far. */
  datatype ParserState = ParserState(
    currentElement: Group,
    currentCondition: Option<string>,
    outputType: Option<string>,
    assemblyName: Option<string>,
    files: seq<string>,
    propertyGroupConditions: seq<string>,
    outputPaths: seq<string>)

  /** Conditions and output paths are appended in pairs, and inside a
      property group a condition is always known. */
  predicate Consistent(s: ParserState) {
    && |s.propertyGroupConditions| == |s.outputPaths|
    && (s.currentElement == InPropertyGroup ==> s.currentCondition.Some?)
  }

  const Initial := ParserState(NoGroup, None, None, None, [], [], [])

  /** The effect of one event, in the order the parser tests the tags. */
  function Step(file: string, s: ParserState, e: Event): (r: Result<ParserState, ParseError>)
    requires Consistent(s)
    ensures r.Ok? ==> Consistent(r.value)
  {
    if !e.StartElement? then Ok(s)
    else if e.localName == PropertyGroupTag then
      Ok(s.(currentElement := InPropertyGroup,
            currentCondition := Some(NullToEmpty(AttributeValue(e.attributes, "Condition")))))
    else if e.localName == ItemGroupTag then
      Ok(s.(currentElement := InItemGroup))
    else if s.currentElement == InItemGroup && IsCompileTag(e.localName) then
      match AttributeValue(e.attributes, "Include")
      case None => Err(MissingAttribute("Include", e.localName, file, e.line))
      case Some(path) => Ok(s.(files := s.files + [path]))
    else if e.localName == "OutputType" then
      match e.text
      case None => Err(TextExpected(e.localName, file, e.line))
      case Some(t) => Ok(s.(outputType := Some(t)))
    else if s.currentElement == InPropertyGroup && IsAssemblyNameTag(e.localName) then
      match e.text
      case None => Err(TextExpected(e.localName, file, e.line))
      case Some(t) => Ok(s.(assemblyName := Some(t)))
    else if s.currentElement == InPropertyGroup && IsOutputPathTag(e.localName) then
      match e.text
      case None => Err(TextExpected(e.localName, file, e.line))
      case Some(t) =>
        Ok(s.(propertyGroupConditions := s.propertyGroupConditions + [s.currentCondition.value],
              outputPaths := s.outputPaths + [t]))
    else Ok(s)
  }

  /** The result of scanning `events` from the start of the document: the
      first error met, or the final state. */
  function Run(file: string, events: seq<Event>): (r: Result<ParserState, ParseError>)
    ensures r.Ok? ==> Consistent(r.value)
    decreases |events|
  {
    if events == [] then Ok(Initial)
    else
      match Run(file, events[..|events| - 1])
      case Err(e) => Err(e)
      case Ok(s) => Step(file, s, events[|events| - 1])
  }

  // ---------------------------------------------------------------------
  // Reference definitions: each field of the result described on its own,
  // from the events alone.

  /** The group entered by the last group start element, NoGroup if none. */
  function LastGroup(events: seq<Event>): Group
    decreases |events|
  {
    if events == [] then NoGroup
    else
      var e := events[|events| - 1];
      if e.StartElement? && e.localName == PropertyGroupTag then InPropertyGroup
      else if e.StartElement? && e.localName == ItemGroupTag then InItemGroup
      else LastGroup(events[..|events| - 1])
  }

  /** The `Condition` of the last property group start element ("" when it
      has none), None before any property group. */
  function LastCondition(events: seq<Event>): Option<string>
    decreases |events|
  {
    if events == [] then None
    else
      var e := events[|events| - 1];
      if e.StartElement? && e.localName == PropertyGroupTag
      then Some(NullToEmpty(AttributeValue(e.attributes, "Condition")))
      else LastCondition(events[..|events| - 1])
  }

  /** The text of the last `OutputType` element, wherever it stands. */
  function LastOutputType(events: seq<Event>): Option<string>
    decreases |events|
  {
    if events == [] then None
    else
      var e := events[|events| - 1];
      if e.StartElement? && e.localName == "OutputType" && e.text.Some? then e.text
      else LastOutputType(events[..|events| - 1])
  }

  /** An assembly-name element standing inside a property group. */
  predicate IsAssemblyNameAt(events: seq<Event>, k: nat)
    requires k < |events|
  {
    events[k].StartElement? && IsAssemblyNameTag(events[k].localName)
    && LastGroup(events[..k]) == InPropertyGroup
  }

  /** The text of the last assembly-name element inside a property group. */
  function LastAssemblyName(events: seq<Event>): Option<string>
    decreases |events|
  {
    if events == [] then None
    else if IsAssemblyNameAt(events, |events| - 1) && events[|events| - 1].text.Some?
    then events[|events| - 1].text
    else LastAssemblyName(events[..|events| - 1])
  }

  /** The `Include` values of the compile elements that stand inside an item
      group, in document order. */
  function DeclaredFiles(events: seq<Event>): seq<string>
    decreases |events|
  {
    if events == [] then []
    else
      var prefix := events[..|events| - 1];
      var e := events[|events| - 1];
      DeclaredFiles(prefix)
      + if e.StartElement? && IsCompileTag(e.localName) && LastGroup(prefix) == InItemGroup
           && AttributeValue(e.attributes, "Include").Some?
        then [AttributeValue(e.attributes, "Include").value] else []
  }

  /** The (condition, output path) pairs of the output-path elements that
      stand inside a property group, in document order, each with the
      condition of the property group it stands in. */
  function DeclaredOutputs(events: seq<Event>): seq<(string, string)>
    decreases |events|
  {
    if events == [] then []
    else
      var prefix := events[..|events| - 1];
      var e := events[|events| - 1];
      DeclaredOutputs(prefix)
      + if e.StartElement? && IsOutputPathTag(e.localName) && LastGroup(prefix) == InPropertyGroup
           && e.text.Some?
        then [(NullToEmpty(LastCondition(prefix)), e.text.value)] else []
  }

  function Zip(xs: seq<string>, ys: seq<string>): (r: seq<(string, string)>)
    requires |xs| == |ys|
    ensures |r| == |xs|
    ensures forall k :: 0 <= k < |r| ==> r[k] == (xs[k], ys[k])
  {
    seq(|xs|, k requires 0 <= k < |xs| => (xs[k], ys[k]))
  }

  // ---------------------------------------------------------------------
  // What a successful scan produces.

  /** The enclosing group is the one most recently entered: end tags and
      other elements never change it, and the condition in effect is that
      of the last property group entered. */
  lemma {:induction false} RunContext(file: string, events: seq<Event>)
    requires Run(file, events).Ok?
    ensures Run(file, events).value.currentElement == LastGroup(events)
    ensures Run(file, events).value.currentCondition == LastCondition(events)
    decreases |events|
  {
    if events != [] {
      RunContext(file, events[..|events| - 1]);
    }
  }

  /** `files` holds the Include value of every compile element inside an
      item group, in document order; the same element elsewhere is ignored. */
  lemma {:induction false} RunFiles(file: string, events: seq<Event>)
    requires Run(file, events).Ok?
    ensures Run(file, events).value.files == DeclaredFiles(events)
    decreases |events|
  {
    if events != [] {
      RunFiles(file, events[..|events| - 1]);
      RunContext(file, events[..|events| - 1]);
    }
  }

  /** The last OutputType element wins, in any context. */
  lemma {:induction false} RunOutputType(file: string, events: seq<Event>)
    requires Run(file, events).Ok?
    ensures Run(file, events).value.outputType == LastOutputType(events)
    decreases |events|
  {
    if events != [] {
      RunOutputType(file, events[..|events| - 1]);
      RunContext(file, events[..|events| - 1]);
    }
  }

  /** The last assembly-name element inside a property group wins. */
  lemma {:induction false} RunAssemblyName(file: string, events: seq<Event>)
    requires Run(file, events).Ok?
    ensures Run(file, events).value.assemblyName == LastAssemblyName(events)
    decreases |events|
  {
    if events != [] {
      RunAssemblyName(file, events[..|events| - 1]);
      RunContext(file, events[..|events| - 1]);
    }
  }

  /** One event adds an output pair exactly when it is an output-path
      element inside a property group, and then it pairs the element's text
      with the condition in effect. */
  lemma StepOutputs(file: string, s: ParserState, e: Event)
    requires Consistent(s) && Step(file, s, e).Ok?
    ensures var t := Step(file, s, e).value;
            if e.StartElement? && IsOutputPathTag(e.localName) && s.currentElement == InPropertyGroup
            then && e.text.Some?
                 && t.propertyGroupConditions == s.propertyGroupConditions + [s.currentCondition.value]
                 && t.outputPaths == s.outputPaths + [e.text.value]
            else t.propertyGroupConditions == s.propertyGroupConditions && t.outputPaths == s.outputPaths
  {
  }

  lemma ZipAppend(xs: seq<string>, ys: seq<string>, x: string, y: string)
    requires |xs| == |ys|
    ensures Zip(xs + [x], ys + [y]) == Zip(xs, ys) + [(x, y)]
  {
  }

  /** Conditions and output paths come in pairs, one pair per output-path
      element inside a property group, each with the condition of the
      property group it stands in. */
  lemma {:induction false} RunOutputs(file: string, events: seq<Event>)
    requires Run(file, events).Ok?
    ensures |Run(file, events).value.propertyGroupConditions| == |Run(file, events).value.outputPaths|
    ensures Zip(Run(file, events).value.propertyGroupConditions, Run(file, events).value.outputPaths)
            == DeclaredOutputs(events)
    decreases |events|
  {
    if events != [] {
      var prefix := events[..|events| - 1];
      RunOutputs(file, prefix);
      RunContext(file, prefix);
      var s := Run(file, prefix).value;
      var e := events[|events| - 1];
      StepOutputs(file, s, e);
      if e.StartElement? && IsOutputPathTag(e.localName) && s.currentElement == InPropertyGroup {
        ZipAppend(s.propertyGroupConditions, s.outputPaths, s.currentCondition.value, e.text.value);
      }
    }
  }

  /** Before any group start element nothing but the output type is
      captured: no file, no assembly name, no output path. */
  lemma {:induction false} NothingBeforeAGroup(file: string, events: seq<Event>)
    requires forall k :: 0 <= k < |events| && events[k].StartElement?
                         ==> events[k].localName != PropertyGroupTag && events[k].localName != ItemGroupTag
    requires Run(file, events).Ok?
    ensures Run(file, events).value.files == [] && Run(file, events).value.assemblyName.None?
    ensures Run(file, events).value.outputPaths == [] && Run(file, events).value.propertyGroupConditions == []
    ensures Run(file, events).value.currentElement == NoGroup
    decreases |events|
  {
    if events != [] {
      NothingBeforeAGroup(file, events[..|events| - 1]);
    }
  }

  /** Once an error is met the scan stops with that error. */
  lemma {:induction false} RunStopsAtError(file: string, events: seq<Event>, n: nat)
    requires n <= |events|
    requires Run(file, events[..n]).Err?
    ensures Run(file, events) == Run(file, events[..n])
    decreases |events| - n
  {
    if n < |events| {
      assert events[..n + 1][..n] == events[..n];
      RunStopsAtError(file, events, n + 1);
    } else {
      assert events[..n] == events;
    }
  }

  /** A compile element without an Include attribute inside an item group
      fails the whole parse with an error naming the file and the line. */
  lemma MissingIncludeFails(file: string, before: seq<Event>, e: Event, after: seq<Event>)
    requires Run(file, before).Ok? && LastGroup(before) == InItemGroup
    requires e.StartElement? && IsCompileTag(e.localName)
    requires AttributeValue(e.attributes, "Include").None?
    ensures Run(file, before + [e] + after) == Err(MissingAttribute("Include", e.localName, file, e.line))
  {
    var events := before + [e] + after;
    RunContext(file, before);
    assert events[..|before| + 1] == before + [e];
    assert (before + [e])[..|before|] == before;
    RunStopsAtError(file, events, |before| + 1);
  }

  // ---------------------------------------------------------------------
  // The parser object.

  class Parser {
    var file: string
    var currentElement: Group
    var currentCondition: Option<string>
    var outputType: Option<string>
    var assemblyName: Option<string>
    var files: seq<string>
    var propertyGroupConditions: seq<string>
    var outputPaths: seq<string>

    ghost function State(): ParserState
      reads this
    {
      ParserState(currentElement, currentCondition, outputType, assemblyName,
                  files, propertyGroupConditions, outputPaths)
    }

    /** Nothing read yet: empty lists, no condition, type or name. */
    predicate IsNew()
      reads this
    {
      currentCondition.None? && outputType.None? && assemblyName.None?
      && files == [] && propertyGroupConditions == [] && outputPaths == []
    }

    constructor ()
      ensures IsNew() && currentElement == NoGroup
    {
      file := "";
      currentElement := NoGroup;
      currentCondition := None;
      outputType := None;
      assemblyName := None;
      files := [];
      propertyGroupConditions := [];
      outputPaths := [];
    }

    /** Scans the whole document and builds the project, or stops at the
        first error. */
    method Parse(file: string, events: seq<Event>) returns (r: Result<Project, ParseError>)
      requires IsNew()
      modifies this
      ensures Run(file, events).Err? ==> r == Err(Run(file, events).error)
      ensures Run(file, events).Ok? ==> r.Ok? && fresh(r.value)
      ensures r.Ok? ==>
                var s := Run(file, events).value;
                && r.value.files == s.files && r.value.outputType == s.outputType
                && r.value.assemblyName == s.assemblyName
                && r.value.propertyGroupConditions == s.propertyGroupConditions
                && r.value.outputPaths == s.outputPaths
                && !r.value.unitTest && !r.value.integTest
    {
      this.file := file;
      currentElement := NoGroup;
      var i := 0;
      while i < |events|
        invariant 0 <= i <= |events|
        invariant this.file == file
        invariant Run(file, events[..i]) == Ok(State())
      {
        var e := events[i];
        assert events[..i + 1][..i] == events[..i];
        if e.StartElement? {
          var err := HandleStartElement(e);
          if err.Some? {
            RunStopsAtError(file, events, i + 1);
            return Err(err.value);
          }
        }
        i := i + 1;
      }
      assert events[..|events|] == events;
      var project := new Project(files, outputType, assemblyName, propertyGroupConditions, outputPaths);
      r := Ok(project);
    }

    /** Dispatches one start element on its tag and the enclosing group. */
    method HandleStartElement(e: Event) returns (err: Option<ParseError>)
      requires e.StartElement? && Consistent(State())
      modifies this
      ensures file == old(file)
      ensures Step(file, old(State()), e).Ok? ==> err.None? && State() == Step(file, old(State()), e).value
      ensures Step(file, old(State()), e).Err? ==> err == Some(Step(file, old(State()), e).error)
    {
      var tagName := e.localName;
      err := None;
      if tagName == PropertyGroupTag {
        currentElement := InPropertyGroup;
        HandlePropertyGroupTag(e);
      } else if tagName == ItemGroupTag {
        currentElement := InItemGroup;
      } else if currentElement == InItemGroup && IsCompileTag(tagName) {
        err := HandleCompileTag(e);
      } else if tagName == "OutputType" {
        err := HandleOutputTypeTag(e);
      } else if currentElement == InPropertyGroup && IsAssemblyNameTag(tagName) {
        err := HandleAssemblyNameTag(e);
      } else if currentElement == InPropertyGroup && IsOutputPathTag(tagName) {
        err := HandleOutputPathTag(e);
      }
    }

    /** Appends the Include value to the files, or fails when it is missing. */
    method HandleCompileTag(e: Event) returns (err: Option<ParseError>)
      requires e.StartElement?
      modifies this`files
      ensures AttributeValue(e.attributes, "Include").Some? ==>
                err.None? && files == old(files) + [AttributeValue(e.attributes, "Include").value]
      ensures AttributeValue(e.attributes, "Include").None? ==>
                err == Some(MissingAttribute("Include", e.localName, file, e.line))
    {
      var path := GetRequiredAttribute(e, "Include");
      if path.Err? {
        return Some(path.error);
      }
      files := files + [path.value];
      err := None;
    }

    /** The element text becomes the output type. */
    method HandleOutputTypeTag(e: Event) returns (err: Option<ParseError>)
      requires e.StartElement?
      modifies this`outputType
      ensures e.text.Some? ==> err.None? && outputType == e.text
      ensures e.text.None? ==> err == Some(TextExpected(e.localName, file, e.line))
    {
      if e.text.None? {
        return Some(TextExpected(e.localName, file, e.line));
      }
      outputType := e.text;
      err := None;
    }

    /** The element text becomes the assembly name. */
    method HandleAssemblyNameTag(e: Event) returns (err: Option<ParseError>)
      requires e.StartElement?
      modifies this`assemblyName
      ensures e.text.Some? ==> err.None? && assemblyName == e.text
      ensures e.text.None? ==> err == Some(TextExpected(e.localName, file, e.line))
    {
      if e.text.None? {
        return Some(TextExpected(e.localName, file, e.line));
      }
      assemblyName := e.text;
      err := None;
    }

    /** The condition of the enclosing property group, "" when it has none. */
    method HandlePropertyGroupTag(e: Event)
      requires e.StartElement?
      modifies this`currentCondition
      ensures currentCondition == Some(NullToEmpty(AttributeValue(e.attributes, "Condition")))
    {
      var condition := GetAttribute(e.attributes, "Condition");
      currentCondition := Some(NullToEmpty(condition));
    }

    /** Appends the current condition, then the element text, to the two
        paired lists. When the text cannot be read the parse fails with the
        condition already appended. */
    method HandleOutputPathTag(e: Event) returns (err: Option<ParseError>)
      requires e.StartElement? && currentCondition.Some?
      modifies this`propertyGroupConditions, this`outputPaths
      ensures propertyGroupConditions == old(propertyGroupConditions) + [currentCondition.value]
      ensures e.text.Some? ==> err.None? && outputPaths == old(outputPaths) + [e.text.value]
      ensures e.text.None? ==> err == Some(TextExpected(e.localName, file, e.line))
    {
      propertyGroupConditions := propertyGroupConditions + [currentCondition.value];
      if e.text.None? {
        return Some(TextExpected(e.localName, file, e.line));
      }
      outputPaths := outputPaths + [e.text.value];
      err := None;
    }

    /** The attribute's value, or an error naming the attribute, the
        element, the file and the line. */
    method GetRequiredAttribute(e: Event, name: string) returns (r: Result<string, ParseError>)
      requires e.StartElement?
      ensures r.Ok? <==> exists k :: 0 <= k < |e.attributes| && e.attributes[k].localName == name
      ensures r.Ok? ==> r.value == AttributeValue(e.attributes, name).value
      ensures r.Err? ==> r.error == MissingAttribute(name, e.localName, file, e.line)
    {
      var value := GetAttribute(e.attributes, name);
      if value.None? {
        return Err(MissingAttribute(name, e.localName, file, e.line));
      }
      r := Ok(value.value);
    }

    /** Searches the attributes in order for the first one called `name`. */
    method GetAttribute(attributes: seq<Attribute>, name: string) returns (r: Option<string>)
      ensures r == AttributeValue(attributes, name)
    {
      var i := 0;
      while i < |attributes|
        invariant 0 <= i <= |attributes|
        invariant forall k :: 0 <= k < i ==> attributes[k].localName != name
      {
        if attributes[i].localName == name {
          AttributeValueFirst(attributes, name, i);
          return Some(attributes[i].value);
        }
        i := i + 1;
      }
      r := None;
    }
  }

  /** The value found for `name` is that of its first occurrence. */
  lemma AttributeValueFirst(attributes: seq<Attribute>, name: string, i: nat)
    requires i < |attributes| && attributes[i].localName == name
    requires forall k :: 0 <= k < i ==> attributes[k].localName != name
    ensures AttributeValue(attributes, name) == Some(attributes[i].value)
  {
    var r := AttributeValue(attributes, name);
    var k :| 0 <= k < |attributes| && attributes[k].localName == name
             && attributes[k].value == r.value
             && forall j :: 0 <= j < k ==> attributes[j].localName != name;
    assert k == i;
  }

  /** VisualStudioProjectParser.parse: a fresh parser over the document. */
  method ParseProject(file: string, events: seq<Event>) returns (r: Result<Project, ParseError>)
    ensures Run(file, events).Err? ==> r == Err(Run(file, events).error)
    ensures Run(file, events).Ok? ==> r.Ok? && fresh(r.value)
    ensures r.Ok? ==>
              var s := Run(file, events).value;
              && r.value.files == s.files && r.value.outputType == s.outputType
              && r.value.assemblyName == s.assemblyName
              && r.value.propertyGroupConditions == s.propertyGroupConditions
              && r.value.outputPaths == s.outputPaths
              && !r.value.unitTest && !r.value.integTest
  {
    var parser := new Parser();
    r := parser.Parse(file, events);
  }
}
